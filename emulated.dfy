/** The emulated device backend: four rings (control submit, control
    complete, work submit, work complete) exchanged with a simulator, whose
    base addresses are programmed into control/status registers (CSRs) at
    initialisation, and the slot framing of the descriptors pushed onto and
    popped from them. */
module Emulated {
  import opened Types
  import opened Descriptors
  import opened RingBuf

  /** The content of one ring slot. Slots written by the driver record which
      descriptor, and which part of it, they carry; slots written by the
      device are raw bytes, interpreted by a decoder given to `pop`. */
  datatype Slot =
    | CtrlSlot(ctrl: ToCardCtrlRbDesc)
    | WorkSlot(work: ToCardWorkRbDesc, part: nat)
    | DeviceSlot(bytes: seq<bv8>)

  datatype RingId = ToCardCtrl | ToHostCtrl | ToCardWork | ToHostWork

  /** The CSRs holding the ring base addresses, as low and high 32-bit halves. */
  datatype Csr =
    | CmdReqQueueAddrLow | CmdReqQueueAddrHigh
    | CmdRespQueueAddrLow | CmdRespQueueAddrHigh
    | SendQueueAddrLow | SendQueueAddrHigh
    | MetaReportQueueAddrLow | MetaReportQueueAddrHigh

  /** One register write sent over the RPC link. */
  datatype CsrWrite = CsrWrite(addr: Csr, value: u32)

  function LowCsr(r: RingId): Csr
  {
    match r
    case ToCardCtrl => CmdReqQueueAddrLow
    case ToHostCtrl => CmdRespQueueAddrLow
    case ToCardWork => SendQueueAddrLow
    case ToHostWork => MetaReportQueueAddrLow
  }

  function HighCsr(r: RingId): Csr
  {
    match r
    case ToCardCtrl => CmdReqQueueAddrHigh
    case ToHostCtrl => CmdRespQueueAddrHigh
    case ToCardWork => SendQueueAddrHigh
    case ToHostWork => MetaReportQueueAddrHigh
  }

  /** Every ring has its own pair of registers: no register is shared
      between two rings or between the halves of one address. */
  lemma CsrPairsDistinct(r: RingId, s: RingId)
    ensures LowCsr(r) != HighCsr(s)
    ensures r != s ==> LowCsr(r) != LowCsr(s) && HighCsr(r) != HighCsr(s)
  {
  }

  /** A 64-bit address (`usize` on the hosts the driver targets). */
  type Addr = u64

  /** `(pa & 0xFFFF_FFFF) as u32`: the low half of an address. Masking an
      unsigned value with the low 32 bits keeps its remainder by 2^32. */
  function Low(pa: Addr): u32
  {
    pa % U32_MODULUS
  }

  /** `(pa >> 32) as u32`: the high half of an address. Shifting an unsigned
      64-bit value right by 32 bits is its quotient by 2^32, which fits in 32 bits. */
  function High(pa: Addr): u32
  {
    pa / U32_MODULUS
  }

  /** The device reassembles a ring address from its two registers. */
  function Recombine(low: u32, high: u32): int
  {
    high * U32_MODULUS + low
  }

  /** Splitting an address into its CSR halves loses nothing: the halves put
      back together give the address, for every 64-bit value, and no other
      address has the same halves. */
  lemma SplitRecombines(pa: Addr, qa: Addr)
    ensures Recombine(Low(pa), High(pa)) == pa
    ensures Low(pa) == Low(qa) && High(pa) == High(qa) ==> pa == qa
  {
  }

  /** `get_phys_addr`: a heap address translated to the device's view by
      subtracting the start of the shared heap; the `usize` subtraction
      demands that the address is not below the heap start. */
  function PhysAddr(virtAddr: Addr, heapStart: Addr): (pa: Addr)
    requires heapStart <= virtAddr
    ensures pa + heapStart == virtAddr
  {
    virtAddr - heapStart
  }

  /** Translation is by offset: the heap start goes to address 0, distances
      between heap addresses are kept, and so is their order. */
  lemma PhysAddrIsOffset(a: Addr, b: Addr, heapStart: Addr)
    requires heapStart <= a && heapStart <= b
    ensures PhysAddr(heapStart, heapStart) == 0
    ensures PhysAddr(a, heapStart) - PhysAddr(b, heapStart) == a - b
    ensures PhysAddr(a, heapStart) + heapStart == a
    ensures a <= b <==> PhysAddr(a, heapStart) <= PhysAddr(b, heapStart)
  {
  }

  /** The two writes that program one ring's base address. */
  function RingCsrWrites(r: RingId, pa: Addr): seq<CsrWrite>
  {
    [CsrWrite(LowCsr(r), Low(pa)), CsrWrite(HighCsr(r), High(pa))]
  }

  /** The writes that `init` issues, in order, for the four ring addresses. */
  function InitCsrWrites(ctrlReqPa: Addr, ctrlRespPa: Addr, workReqPa: Addr, workRespPa: Addr): seq<CsrWrite>
  {
    RingCsrWrites(ToCardCtrl, ctrlReqPa) + RingCsrWrites(ToHostCtrl, ctrlRespPa)
    + RingCsrWrites(ToCardWork, workReqPa) + RingCsrWrites(ToHostWork, workRespPa)
  }

  /** The value a register holds after a sequence of writes: the last one to it. */
  function CsrValue(log: seq<CsrWrite>, addr: Csr): Option<u32>
  {
    if log == [] then None
    else if log[|log| - 1].addr == addr then Some(log[|log| - 1].value)
    else CsrValue(log[..|log| - 1], addr)
  }

  /** Later writes hide earlier ones. */
  lemma {:induction false} CsrValueAppend(a: seq<CsrWrite>, b: seq<CsrWrite>, addr: Csr)
    ensures CsrValue(a + b, addr) == if CsrValue(b, addr).Some? then CsrValue(b, addr) else CsrValue(a, addr)
  {
    if b != [] {
      assert (a + b)[..|a + b| - 1] == a + b[..|b| - 1];
      CsrValueAppend(a, b[..|b| - 1], addr);
    } else {
      assert a + b == a;
    }
  }

  function RingPa(r: RingId, ctrlReqPa: Addr, ctrlRespPa: Addr, workReqPa: Addr, workRespPa: Addr): Addr
  {
    match r
    case ToCardCtrl => ctrlReqPa
    case ToHostCtrl => ctrlRespPa
    case ToCardWork => workReqPa
    case ToHostWork => workRespPa
  }

  lemma RingCsrValues(r: RingId, s: RingId, pa: Addr)
    ensures CsrValue(RingCsrWrites(s, pa), LowCsr(r)) ==
      if r == s then Some(Low(pa)) else None
    ensures CsrValue(RingCsrWrites(s, pa), HighCsr(r)) ==
      if r == s then Some(High(pa)) else None
  {
    CsrPairsDistinct(r, s);
    CsrPairsDistinct(s, r);
    var w := RingCsrWrites(s, pa);
    assert w[..1] == [w[0]];
    assert w[..1][..0] == [];
    assert CsrValue(w[..1], LowCsr(r)) == if r == s then Some(Low(pa)) else None;
    assert CsrValue(w[..1], HighCsr(r)) == None;
  }

  /** The value of a register after four batches of writes: the latest
      batch that writes it decides. */
  lemma CsrValueOfBatches(a: seq<CsrWrite>, b: seq<CsrWrite>, c: seq<CsrWrite>, d: seq<CsrWrite>, addr: Csr)
    ensures CsrValue(a + b + c + d, addr) ==
      if CsrValue(d, addr).Some? then CsrValue(d, addr)
      else if CsrValue(c, addr).Some? then CsrValue(c, addr)
      else if CsrValue(b, addr).Some? then CsrValue(b, addr)
      else CsrValue(a, addr)
  {
    CsrValueAppend(a + b + c, d, addr);
    CsrValueAppend(a + b, c, addr);
    CsrValueAppend(a, b, addr);
  }

  /** The registers of ring `r` after the four batches of `init`, when the
      batch that programs `r` is the `k`-th: only that batch writes them. */
  lemma InitBatchValues(r: RingId, a: seq<CsrWrite>, b: seq<CsrWrite>, c: seq<CsrWrite>, d: seq<CsrWrite>, pa: Addr)
    requires RingCsrWrites(r, pa) in [a, b, c, d]
    requires forall w :: w in [a, b, c, d] && w != RingCsrWrites(r, pa) ==>
               CsrValue(w, LowCsr(r)) == None && CsrValue(w, HighCsr(r)) == None
    ensures CsrValue(a + b + c + d, LowCsr(r)) == Some(Low(pa))
    ensures CsrValue(a + b + c + d, HighCsr(r)) == Some(High(pa))
  {
    RingCsrValues(r, r, pa);
    CsrValueOfBatches(a, b, c, d, LowCsr(r));
    CsrValueOfBatches(a, b, c, d, HighCsr(r));
  }

  /** After initialisation every ring's register pair holds that ring's
      physical address, reassembled exactly by the device. */
  lemma InitProgramsEveryRing(r: RingId, ctrlReqPa: Addr, ctrlRespPa: Addr, workReqPa: Addr, workRespPa: Addr)
    ensures var log := InitCsrWrites(ctrlReqPa, ctrlRespPa, workReqPa, workRespPa);
      var pa := RingPa(r, ctrlReqPa, ctrlRespPa, workReqPa, workRespPa);
      && CsrValue(log, LowCsr(r)) == Some(Low(pa))
      && CsrValue(log, HighCsr(r)) == Some(High(pa))
      && Recombine(CsrValue(log, LowCsr(r)).value, CsrValue(log, HighCsr(r)).value) == pa
  {
    var a := RingCsrWrites(ToCardCtrl, ctrlReqPa);
    var b := RingCsrWrites(ToHostCtrl, ctrlRespPa);
    var c := RingCsrWrites(ToCardWork, workReqPa);
    var d := RingCsrWrites(ToHostWork, workRespPa);
    match r
    case ToCardCtrl =>
      RingCsrValues(ToCardCtrl, ToHostCtrl, ctrlRespPa);
      RingCsrValues(ToCardCtrl, ToCardWork, workReqPa);
      RingCsrValues(ToCardCtrl, ToHostWork, workRespPa);
      InitBatchValues(r, a, b, c, d, ctrlReqPa);
      SplitRecombines(ctrlReqPa, ctrlReqPa);
    case ToHostCtrl =>
      RingCsrValues(ToHostCtrl, ToCardCtrl, ctrlReqPa);
      RingCsrValues(ToHostCtrl, ToCardWork, workReqPa);
      RingCsrValues(ToHostCtrl, ToHostWork, workRespPa);
      InitBatchValues(r, a, b, c, d, ctrlRespPa);
      SplitRecombines(ctrlRespPa, ctrlRespPa);
    case ToCardWork =>
      RingCsrValues(ToCardWork, ToCardCtrl, ctrlReqPa);
      RingCsrValues(ToCardWork, ToHostCtrl, ctrlRespPa);
      RingCsrValues(ToCardWork, ToHostWork, workRespPa);
      InitBatchValues(r, a, b, c, d, workReqPa);
      SplitRecombines(workReqPa, workReqPa);
    case ToHostWork =>
      RingCsrValues(ToHostWork, ToCardCtrl, ctrlReqPa);
      RingCsrValues(ToHostWork, ToHostCtrl, ctrlRespPa);
      RingCsrValues(ToHostWork, ToCardWork, workReqPa);
      InitBatchValues(r, a, b, c, d, workRespPa);
      SplitRecombines(workRespPa, workRespPa);
  }

  /** The slots a work descriptor occupies: parts 0, 1 and 2, and part 3 only
      when its serialised form reports four slots. */
  function WorkParts(d: ToCardWorkRbDesc): (parts: seq<Slot>)
    ensures |parts| == (if d.descCnt == 4 then 4 else 3)
    ensures forall i :: 0 <= i < |parts| ==> parts[i] == WorkSlot(d, i)
  {
    [WorkSlot(d, 0), WorkSlot(d, 1), WorkSlot(d, 2)] + if d.descCnt == 4 then [WorkSlot(d, 3)] else []
  }

  /** How many of `need` slots fit in a ring of `depth` slots holding `used`. */
  function Admitted(used: nat, depth: nat, need: nat): (n: nat)
    requires used <= depth
    ensures n <= need && used + n <= depth
    ensures n < need <==> used + need > depth
    ensures n < need ==> used + n == depth
  {
    if used + need <= depth then need else depth - used
  }

  /** What pushing a control descriptor onto a ring holding `c` returns,
      and what the ring then holds. */
  function CtrlPush(c: seq<Slot>, depth: nat, poisoned: bool, desc: ToCardCtrlRbDesc)
    : (r: (Result<(), DeviceError>, seq<Slot>))
    requires |c| <= depth
    ensures |r.1| <= depth
    ensures poisoned ==> r == (Err(LockPoisoned), c)
    ensures !poisoned && |c| < depth ==> r == (Ok(()), c + [CtrlSlot(desc)])
    ensures !poisoned && |c| == depth ==> r == (Err(Overflow), c)
  {
    if poisoned then (Err(LockPoisoned), c)
    else if |c| < depth then (Ok(()), c + [CtrlSlot(desc)])
    else (Err(Overflow), c)
  }

  /** What pushing a work descriptor onto a ring holding `c` returns, and
      what the ring then holds: all its parts when they fit; otherwise
      `Overflow`, with the parts that found a slot left in the ring. */
  function WorkPush(c: seq<Slot>, depth: nat, poisoned: bool, desc: ToCardWorkRbDesc)
    : (r: (Result<(), DeviceError>, seq<Slot>))
    requires |c| <= depth
    ensures |r.1| <= depth
    ensures poisoned ==> r == (Err(LockPoisoned), c)
    ensures !poisoned ==> (r.0.Ok? <==> |c| + |WorkParts(desc)| <= depth)
    ensures !poisoned && r.0.Ok? ==> r.1 == c + WorkParts(desc)
    ensures !poisoned && r.0.Err? ==>
              && r.0 == Err(Overflow) && |r.1| == depth
              && exists n :: 0 <= n < |WorkParts(desc)| && r.1 == c + WorkParts(desc)[..n]
  {
    if poisoned then (Err(LockPoisoned), c)
    else
      var parts := WorkParts(desc);
      var n := Admitted(|c|, depth, |parts|);
      assert parts[..|parts|] == parts;
      (if n == |parts| then Ok(()) else Err(Overflow), c + parts[..n])
  }

  /** The outcome of one step of the two-phase decoder of the work-completion ring. */
  datatype DecodeResult<D, P> = Complete(desc: D) | Incomplete(partial: P)

  /** The outcome of popping a work completion: a descriptor, an error, or the
      unimplemented path reached when the second slot still leaves the
      descriptor incomplete. */
  datatype PopOutcome<D> = Popped(desc: D) | PopFailed(error: DeviceError) | Unimplemented

  const READ_FAILED: DeviceError := Device("Failed to read from ringbuf")

  /** What a work pop returns and how many slots it consumes, given the
      unread slots of the ring. */
  function WorkPop<D, P>(c: seq<Slot>, readFirst: Slot -> DecodeResult<D, P>, resume: (P, Slot) -> DecodeResult<D, P>)
    : (r: (PopOutcome<D>, nat))
    ensures r.1 <= 2 && r.1 <= |c|
    ensures c == [] <==> r.1 == 0
    ensures c == [] ==> r.0 == PopFailed(READ_FAILED)
    ensures r.0.Popped? && r.1 == 1 <==> c != [] && readFirst(c[0]).Complete?
    ensures r.1 == 2 <==> |c| >= 2 && readFirst(c[0]).Incomplete?
    ensures r.0.Unimplemented? ==> r.1 == 2
    ensures c != [] && readFirst(c[0]).Complete? ==> r == (Popped(readFirst(c[0]).desc), 1)
    ensures |c| == 1 && readFirst(c[0]).Incomplete? ==> r == (PopFailed(READ_FAILED), 1)
    ensures |c| >= 2 && readFirst(c[0]).Incomplete? ==>
              r.0 == match resume(readFirst(c[0]).partial, c[1])
                     case Complete(d) => Popped(d)
                     case Incomplete(_) => Unimplemented
  {
    if c == [] then (PopFailed(READ_FAILED), 0)
    else match readFirst(c[0])
      case Complete(d) => (Popped(d), 1)
      case Incomplete(p) =>
        if |c| == 1 then (PopFailed(READ_FAILED), 1)
        else match resume(p, c[1])
          case Complete(d) => (Popped(d), 2)
          case Incomplete(_) => (Unimplemented, 2)
  }

  class EmulatedDevice {
    const toCardCtrlRb: Ring<Slot>
    const toHostCtrlRb: Ring<Slot>
    const toCardWorkRb: Ring<Slot>
    const toHostWorkRb: Ring<Slot>
    const heapMemStartAddr: Addr
    /** The register writes sent to the simulator, in order. */
    var csrLog: seq<CsrWrite>
    ghost const Repr: set<object>

    ghost predicate Valid()
      reads this, Repr
    {
      && Repr == {toCardCtrlRb, toHostCtrlRb, toCardWorkRb, toHostWorkRb}
      && toCardCtrlRb != toHostCtrlRb && toCardCtrlRb != toCardWorkRb && toCardCtrlRb != toHostWorkRb
      && toHostCtrlRb != toCardWorkRb && toHostCtrlRb != toHostWorkRb && toCardWorkRb != toHostWorkRb
      && toCardCtrlRb.Valid() && toHostCtrlRb.Valid() && toCardWorkRb.Valid() && toHostWorkRb.Valid()
    }

    /** `init`: builds the four rings of `depth` slots, whose buffers lie at
        the given heap addresses, and programs each ring's physical address
        into its CSR pair, low half first. */
    constructor Init(heapStart: Addr, ctrlReqVa: Addr, ctrlRespVa: Addr, workReqVa: Addr, workRespVa: Addr, depth: nat)
      requires heapStart <= ctrlReqVa && heapStart <= ctrlRespVa
      requires heapStart <= workReqVa && heapStart <= workRespVa
      ensures Valid() && fresh(Repr)
      ensures heapMemStartAddr == heapStart
      ensures toCardCtrlRb.depth == depth && toHostCtrlRb.depth == depth
      ensures toCardWorkRb.depth == depth && toHostWorkRb.depth == depth
      ensures toCardCtrlRb.contents == [] && toHostCtrlRb.contents == []
      ensures toCardWorkRb.contents == [] && toHostWorkRb.contents == []
      ensures !toCardCtrlRb.poisoned && !toHostCtrlRb.poisoned
      ensures !toCardWorkRb.poisoned && !toHostWorkRb.poisoned
      ensures csrLog == InitCsrWrites(PhysAddr(ctrlReqVa, heapStart), PhysAddr(ctrlRespVa, heapStart),
                                      PhysAddr(workReqVa, heapStart), PhysAddr(workRespVa, heapStart))
    {
      var a := new Ring(depth);
      var b := new Ring(depth);
      var c := new Ring(depth);
      var d := new Ring(depth);
      toCardCtrlRb, toHostCtrlRb, toCardWorkRb, toHostWorkRb := a, b, c, d;
      heapMemStartAddr := heapStart;
      csrLog := [];
      Repr := {a, b, c, d};
      new;
      ProgramRing(ToCardCtrl, PhysAddr(ctrlReqVa, heapStart));
      assert csrLog == RingCsrWrites(ToCardCtrl, PhysAddr(ctrlReqVa, heapStart));
      ProgramRing(ToHostCtrl, PhysAddr(ctrlRespVa, heapStart));
      ProgramRing(ToCardWork, PhysAddr(workReqVa, heapStart));
      ProgramRing(ToHostWork, PhysAddr(workRespVa, heapStart));
    }

    /** Programs one ring's base address: the low half, then the high half. */
    method ProgramRing(r: RingId, pa: Addr)
      modifies this`csrLog
      ensures csrLog == old(csrLog) + RingCsrWrites(r, pa)
    {
      WriteCsr(LowCsr(r), Low(pa));
      WriteCsr(HighCsr(r), High(pa));
    }

    /** `write_csr`: one register write over the RPC link. */
    method WriteCsr(addr: Csr, data: u32)
      modifies this`csrLog
      ensures csrLog == old(csrLog) + [CsrWrite(addr, data)]
    {
      csrLog := csrLog + [CsrWrite(addr, data)];
    }

    /** Pushing a control descriptor: it takes exactly one slot. */
    method PushCtrl(desc: ToCardCtrlRbDesc) returns (r: Result<(), DeviceError>)
      requires Valid()
      modifies toCardCtrlRb
      ensures Valid()
      ensures toCardCtrlRb.poisoned == old(toCardCtrlRb.poisoned)
      ensures (r, toCardCtrlRb.contents) ==
                CtrlPush(old(toCardCtrlRb.contents), toCardCtrlRb.depth, old(toCardCtrlRb.poisoned), desc)
    {
      if toCardCtrlRb.poisoned {
        return Err(LockPoisoned);
      }
      var ok := toCardCtrlRb.WriterNext(CtrlSlot(desc));
      if !ok {
        return Err(Overflow);
      }
      r := Ok(());
    }

    /** Popping a control completion: exactly one slot, decoded by `read`. */
    method PopCtrl<D>(read: Slot -> D) returns (r: Result<D, DeviceError>)
      requires Valid()
      modifies toHostCtrlRb
      ensures Valid()
      ensures toHostCtrlRb.poisoned == old(toHostCtrlRb.poisoned)
      ensures old(toHostCtrlRb.poisoned) ==>
                r == Err(LockPoisoned) && toHostCtrlRb.contents == old(toHostCtrlRb.contents)
      ensures !old(toHostCtrlRb.poisoned) && old(toHostCtrlRb.contents) == [] ==>
                r == Err(READ_FAILED) && toHostCtrlRb.contents == []
      ensures !old(toHostCtrlRb.poisoned) && old(toHostCtrlRb.contents) != [] ==>
                r == Ok(read(old(toHostCtrlRb.contents)[0]))
                && toHostCtrlRb.contents == old(toHostCtrlRb.contents)[1..]
    {
      if toHostCtrlRb.poisoned {
        return Err(LockPoisoned);
      }
      var mem := toHostCtrlRb.ReaderNext();
      if mem.None? {
        return Err(READ_FAILED);
      }
      r := Ok(read(mem.value));
    }

    /** Pushing a work descriptor: its parts go into consecutive slots, in
        order; the first part that finds no free slot ends the push with
        `Overflow`, leaving the parts before it in the ring. */
    method PushWork(desc: ToCardWorkRbDesc) returns (r: Result<(), DeviceError>)
      requires Valid()
      modifies toCardWorkRb
      ensures Valid()
      ensures toCardWorkRb.poisoned == old(toCardWorkRb.poisoned)
      ensures (r, toCardWorkRb.contents) ==
                WorkPush(old(toCardWorkRb.contents), toCardWorkRb.depth, old(toCardWorkRb.poisoned), desc)
    {
      if toCardWorkRb.poisoned {
        return Err(LockPoisoned);
      }
      ghost var c0 := toCardWorkRb.contents;
      ghost var parts := WorkParts(desc);
      var ok := toCardWorkRb.WriterNext(WorkSlot(desc, 0));
      if !ok {
        assert toCardWorkRb.contents == c0 + parts[..0];
        return Err(Overflow);
      }
      ok := toCardWorkRb.WriterNext(WorkSlot(desc, 1));
      if !ok {
        assert toCardWorkRb.contents == c0 + parts[..1];
        return Err(Overflow);
      }
      ok := toCardWorkRb.WriterNext(WorkSlot(desc, 2));
      if !ok {
        assert toCardWorkRb.contents == c0 + parts[..2];
        return Err(Overflow);
      }
      if desc.descCnt == 4 {
        ok := toCardWorkRb.WriterNext(WorkSlot(desc, 3));
        if !ok {
          assert toCardWorkRb.contents == c0 + parts[..3];
          return Err(Overflow);
        }
      }
      assert toCardWorkRb.contents == c0 + parts;
      assert parts[..|parts|] == parts;
      r := Ok(());
    }

    /** Popping a work completion with the two-phase decoder: one slot, and
        one more only when the first leaves the descriptor incomplete. */
    method PopWork<D, P>(readFirst: Slot -> DecodeResult<D, P>, resume: (P, Slot) -> DecodeResult<D, P>)
      returns (r: PopOutcome<D>)
      requires Valid()
      modifies toHostWorkRb
      ensures Valid()
      ensures toHostWorkRb.poisoned == old(toHostWorkRb.poisoned)
      ensures old(toHostWorkRb.poisoned) ==>
                r == PopFailed(LockPoisoned) && toHostWorkRb.contents == old(toHostWorkRb.contents)
      ensures !old(toHostWorkRb.poisoned) ==>
                var (outcome, consumed) := WorkPop(old(toHostWorkRb.contents), readFirst, resume);
                r == outcome && toHostWorkRb.contents == old(toHostWorkRb.contents)[consumed..]
    {
      if toHostWorkRb.poisoned {
        return PopFailed(LockPoisoned);
      }
      ghost var c0 := toHostWorkRb.contents;
      var mem := toHostWorkRb.ReaderNext();
      if mem.None? {
        return PopFailed(READ_FAILED);
      }
      var readRes := readFirst(mem.value);
      // The source's `loop` never runs its body twice: each arm breaks,
      // returns or reaches `todo!()`.
      match readRes
      case Complete(d) =>
        r := Popped(d);
      case Incomplete(incomplete) =>
        var nextMem := toHostWorkRb.ReaderNext();
        if nextMem.None? {
          return PopFailed(READ_FAILED);
        }
        assert c0[1..][1..] == c0[2..];
        readRes := resume(incomplete, nextMem.value);
        match readRes
        case Complete(d) =>
          r := Popped(d);
        case Incomplete(_) =>
          r := Unimplemented;
    }
  }
}

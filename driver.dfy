/** The driver's submission path: MSN and control-operation-id allocation,
    PSN reservation on the queue pair, the total length of a request, and
    the registration of operation contexts around pushing descriptors onto
    the emulated device's rings. */
module Driver {
  import opened Types
  import opened Descriptors
  import opened RingBuf
  import opened Emulated

  /** A queue pair's context: the fields the submission path copies into a
      descriptor, and the next PSN to send. */
  datatype QpContext = QpContext(
    qpn: Qpn,
    dqpIp: u32,
    dqpMacAddr: u64,
    pmtu: nat,
    qpType: nat,
    sendingPsn: Psn)

  /** An optional SGE as the builder's `with_option_sge` sees it. */
  function OptSge(s: Option<Sge>): seq<Sge>
  {
    if s.Some? then [s.value] else []
  }

  /** `map_or(0, |sge| sge.len)`. */
  function OptLen(s: Option<Sge>): nat
  {
    if s.Some? then s.value.len else 0
  }

  /** The scatter/gather list of a write: `sge0`, then each present optional
      SGE, in order; an absent one leaves no gap. */
  function SgeList(sge0: Sge, sge1: Option<Sge>, sge2: Option<Sge>, sge3: Option<Sge>): (l: seq<Sge>)
    ensures 1 <= |l| <= 4 && l[0] == sge0
    ensures |l| == 1 + |OptSge(sge1)| + |OptSge(sge2)| + |OptSge(sge3)|
    ensures forall s :: s in l ==> s == sge0 || Some(s) in [sge1, sge2, sge3]
  {
    [sge0] + OptSge(sge1) + OptSge(sge2) + OptSge(sge3)
  }

  /** The number of bytes a scatter/gather list describes. */
  function SumLens(l: seq<Sge>): nat
  {
    if l == [] then 0 else l[0].len + SumLens(l[1..])
  }

  lemma {:induction false} SumLensAppend(a: seq<Sge>, b: seq<Sge>)
    ensures SumLens(a + b) == SumLens(a) + SumLens(b)
  {
    if a == [] {
      assert a + b == b;
    } else {
      assert (a + b)[1..] == a[1..] + b;
      SumLensAppend(a[1..], b);
    }
  }

  /** `total_len` of a write: three `u32` additions, each wrapping as in a
      release build, which give the exact sum of the four lengths reduced
      once modulo 2^32. */
  function TotalLen(sge0: Sge, sge1: Option<Sge>, sge2: Option<Sge>, sge3: Option<Sge>): (r: u32)
    ensures r == (sge0.len + OptLen(sge1) + OptLen(sge2) + OptLen(sge3)) % U32_MODULUS
  {
    WrapAbsorbs32(sge0.len + OptLen(sge1), OptLen(sge2));
    WrapAbsorbs32(sge0.len + OptLen(sge1) + OptLen(sge2), OptLen(sge3));
    WrappingAdd32(WrappingAdd32(WrappingAdd32(sge0.len, OptLen(sge1)), OptLen(sge2)), OptLen(sge3))
  }

  /** The bytes of a write's SGE list are the four lengths `total_len` adds. */
  lemma SgeListBytes(sge0: Sge, sge1: Option<Sge>, sge2: Option<Sge>, sge3: Option<Sge>)
    ensures SumLens(SgeList(sge0, sge1, sge2, sge3)) == sge0.len + OptLen(sge1) + OptLen(sge2) + OptLen(sge3)
  {
    var a, b, c := OptSge(sge1), OptSge(sge2), OptSge(sge3);
    assert SumLens([sge0]) == sge0.len by { assert [sge0][1..] == []; }
    forall s: Option<Sge> ensures SumLens(OptSge(s)) == OptLen(s) {
      if s.Some? { assert [s.value][1..] == []; }
    }
    SumLensAppend([sge0] + a + b, c);
    SumLensAppend([sge0] + a, b);
    SumLensAppend([sge0], a);
  }

  /** The total length is the number of bytes of the SGEs the descriptor
      carries, reduced to 32 bits; exactly that number whenever it fits. */
  lemma TotalLenIsSumOfSges(sge0: Sge, sge1: Option<Sge>, sge2: Option<Sge>, sge3: Option<Sge>)
    ensures TotalLen(sge0, sge1, sge2, sge3) == SumLens(SgeList(sge0, sge1, sge2, sge3)) % U32_MODULUS
    ensures SumLens(SgeList(sge0, sge1, sge2, sge3)) < U32_MODULUS ==>
              TotalLen(sge0, sge1, sge2, sge3) == SumLens(SgeList(sge0, sge1, sge2, sge3))
  {
    SgeListBytes(sge0, sge1, sge2, sge3);
  }

  /** Reducing a partial sum early does not change the reduced total. */
  lemma WrapAbsorbs32(x: nat, y: nat)
    ensures (x % U32_MODULUS + y) % U32_MODULUS == (x + y) % U32_MODULUS
  {
  }

  /** The MSN the `i`-th call of `get_msn` returns (counting from 0) when
      the counter starts at `m0`. */
  function NthMsn(m0: u16, i: nat): Msn
  {
    WrappingAdd16(m0, i)
  }

  /** One call of `get_msn` moves the counter from the `i`-th MSN to the next. */
  lemma NextMsnStep(m0: u16, i: nat)
    ensures WrappingAdd16(NthMsn(m0, i), 1) == NthMsn(m0, i + 1)
  {
  }

  /** Fewer than 2^16 consecutive calls never hand out the same MSN twice. */
  lemma MsnsDistinctWithinWindow(m0: u16, i: nat, j: nat)
    requires i < j < i + U16_MODULUS
    ensures NthMsn(m0, i) != NthMsn(m0, j)
  {
  }

  /** The counter wraps: 2^16 calls later the same MSN comes back. */
  lemma MsnRepeatsAfterWindow(m0: u16, i: nat)
    ensures NthMsn(m0, i + U16_MODULUS) == NthMsn(m0, i)
  {
  }

  /** The PSNs of the `cnt` packets of a request whose first packet has PSN `first`. */
  function PsnRange(first: Psn, cnt: nat): seq<Psn>
  {
    seq(cnt, i requires 0 <= i => PsnAdd(first, i))
  }

  /** Advancing a PSN twice is advancing it by the sum. */
  lemma PsnAddTwice(p: Psn, a: nat, b: nat)
    ensures PsnAdd(PsnAdd(p, a), b) == PsnAdd(p, a + b)
  {
    assert ((p + a) % U24_MODULUS + b) % U24_MODULUS == (p + a + b) % U24_MODULUS;
  }

  /** Two successive requests on one queue pair get adjacent PSN ranges: the
      second starts where the first's reservation left `sending_psn`. */
  lemma PsnReservationsAdjacent(first: Psn, cnt1: nat, cnt2: nat)
    ensures PsnRange(first, cnt1) + PsnRange(PsnAdd(first, cnt1), cnt2) == PsnRange(first, cnt1 + cnt2)
  {
    var l, r := PsnRange(first, cnt1), PsnRange(PsnAdd(first, cnt1), cnt2);
    forall i | 0 <= i < cnt1 + cnt2
      ensures (l + r)[i] == PsnRange(first, cnt1 + cnt2)[i]
    {
      if i >= cnt1 {
        assert (l + r)[i] == r[i - cnt1] == PsnAdd(PsnAdd(first, cnt1), i - cnt1);
        PsnAddTwice(first, cnt1, i - cnt1);
      }
    }
  }

  /** A reservation of at most 2^24 packets never reuses a PSN. */
  lemma PsnRangeDistinct(first: Psn, cnt: nat, i: nat, j: nat)
    requires i < j < cnt <= U24_MODULUS
    ensures PsnRange(first, cnt)[i] != PsnRange(first, cnt)[j]
  {
  }

  /** The common descriptor fields of a request on queue pair `qp`: its
      first packet carries the queue pair's current `sending_psn`. */
  function DescCommon(qp: QpContext, totalLen: u32, raddr: u64, rkey: u32, flags: nat, msn: Msn): (c: WorkCommon)
    ensures c.psn == qp.sendingPsn && c.msn == msn && c.totalLen == totalLen
    ensures c.dqpn == qp.qpn && c.dqpIp == qp.dqpIp && c.macAddr == qp.dqpMacAddr
    ensures c.pmtu == qp.pmtu && c.qpType == qp.qpType
    ensures c.raddr == raddr && c.rkey == rkey && c.flags == flags
  {
    WorkCommon(totalLen, raddr, rkey, qp.dqpIp, qp.qpn, qp.dqpMacAddr, qp.pmtu, flags, qp.qpType, qp.sendingPsn, msn)
  }

  /** What happens once a request's descriptor has been built (or not): the
      result, the work ring's new contents and the new context map. A
      context is registered only after the whole descriptor is on the ring,
      and a registered context replaces any earlier one under that MSN even
      though the call then reports `CreateOpCtxFailed`. */
  function Submit(built: Result<ToCardWorkRbDesc, Error>, ring: seq<Slot>, depth: nat, poisoned: bool,
                  ctxMap: map<Msn, CtxStatus>, msn: Msn)
    : (r: (Result<Msn, Error>, seq<Slot>, map<Msn, CtxStatus>))
    requires |ring| <= depth
    ensures built.Err? ==> r == (Err(built.error), ring, ctxMap)
    ensures r.2 != ctxMap ==> built.Ok? && r.1 == ring + WorkParts(built.value) && r.2 == ctxMap[msn := Running]
    ensures r.1 != ring ==> built.Ok? && !poisoned
    ensures r.0.Ok? <==> built.Ok? && !poisoned && |ring| + |WorkParts(built.value)| <= depth && msn !in ctxMap
    ensures r.0.Ok? ==> r.0.value == msn && r.2 == ctxMap[msn := Running] && r.1 == ring + WorkParts(built.value)
    ensures built.Ok? && (poisoned || |ring| + |WorkParts(built.value)| > depth) ==>
              r.0 == Err(DeviceBusy) && r.2 == ctxMap
    ensures built.Ok? && !poisoned && |ring| + |WorkParts(built.value)| <= depth && msn in ctxMap ==>
              r.0 == Err(CreateOpCtxFailed) && r.2 == ctxMap[msn := Running]
  {
    if built.Err? then (Err(built.error), ring, ctxMap)
    else
      var (pushed, ring') := WorkPush(ring, depth, poisoned, built.value);
      if pushed.Err? then (Err(DeviceBusy), ring', ctxMap)
      else (if msn in ctxMap then Err(CreateOpCtxFailed) else Ok(msn), ring', ctxMap[msn := Running])
  }

  /** The driver object (`Device`): the queue-pair table, the operation
      context maps keyed by MSN or by control operation id, the two
      counters, and the device backend. */
  class Device {
    var qpTable: map<Qpn, QpContext>
    var writeOpCtxMap: map<Msn, CtxStatus>
    var readOpCtxMap: map<Msn, CtxStatus>
    var ctrlOpCtxMap: map<u32, CtxStatus>
    var nextCtrlOpId: u32
    var nextMsn: u16
    const localNetwork: RdmaDeviceNetwork
    const adaptor: EmulatedDevice

    ghost predicate Valid()
      reads this, adaptor, adaptor.Repr
    {
      adaptor.Valid()
    }

    /** The state `new_emulated` starts from: no queue pair, no context,
        both counters at 0. */
    constructor (adaptor: EmulatedDevice, network: RdmaDeviceNetwork)
      requires adaptor.Valid()
      ensures Valid() && this.adaptor == adaptor && localNetwork == network
      ensures qpTable == map[] && writeOpCtxMap == map[] && readOpCtxMap == map[] && ctrlOpCtxMap == map[]
      ensures nextCtrlOpId == 0 && nextMsn == 0
    {
      qpTable := map[];
      writeOpCtxMap, readOpCtxMap, ctrlOpCtxMap := map[], map[], map[];
      nextCtrlOpId, nextMsn := 0, 0;
      localNetwork := network;
      this.adaptor := adaptor;
    }

    /** `get_msn`: the counter's value, and the counter advanced with 16-bit wrap. */
    method GetMsn() returns (msn: Msn)
      modifies this`nextMsn
      ensures msn == old(nextMsn) && nextMsn == WrappingAdd16(old(nextMsn), 1)
    {
      msn := nextMsn;
      nextMsn := WrappingAdd16(nextMsn, 1);
    }

    /** `get_ctrl_op_id`: the counter's value, and the counter advanced with 32-bit wrap. */
    method GetCtrlOpId() returns (id: u32)
      modifies this`nextCtrlOpId
      ensures id == old(nextCtrlOpId) && nextCtrlOpId == WrappingAdd32(old(nextCtrlOpId), 1)
    {
      id := nextCtrlOpId;
      nextCtrlOpId := WrappingAdd32(nextCtrlOpId, 1);
    }

    /** `send_work_desc`: pushes onto the work ring; every push error
        becomes `DeviceBusy`. */
    method SendWorkDesc(desc: ToCardWorkRbDesc) returns (r: Result<(), Error>)
      requires Valid()
      modifies adaptor.toCardWorkRb
      ensures Valid()
      ensures adaptor.toCardWorkRb.poisoned == old(adaptor.toCardWorkRb.poisoned)
      ensures var (pushed, ring) := WorkPush(old(adaptor.toCardWorkRb.contents), adaptor.toCardWorkRb.depth,
                                             old(adaptor.toCardWorkRb.poisoned), desc);
              && adaptor.toCardWorkRb.contents == ring
              && r == if pushed.Ok? then Ok(()) else Err(DeviceBusy)
    {
      var pushed := adaptor.PushWork(desc);
      if pushed.Err? {
        return Err(DeviceBusy);
      }
      r := Ok(());
    }

    /** `write`: takes an MSN, looks up the queue pair, reserves
        `packet_cnt` PSNs, builds and sends the descriptor, and registers a
        running context under the MSN. `packetCnt` stands for
        `calculate_packet_cnt` and `build` for the descriptor builder. The
        result is the MSN the context is registered under. */
    method Write(dqpn: Qpn, raddr: u64, rkey: u32, flags: nat,
                 sge0: Sge, sge1: Option<Sge>, sge2: Option<Sge>, sge3: Option<Sge>,
                 packetCnt: (nat, u64, u32) -> nat, build: BuildRequest -> Result<ToCardWorkRbDesc, Error>)
      returns (r: Result<Msn, Error>)
      requires Valid()
      modifies this`nextMsn, this`qpTable, this`writeOpCtxMap, adaptor.toCardWorkRb
      ensures Valid()
      ensures nextMsn == WrappingAdd16(old(nextMsn), 1)
      ensures adaptor.toCardWorkRb.poisoned == old(adaptor.toCardWorkRb.poisoned)
      ensures dqpn !in old(qpTable) ==>
                && r == Err(InvalidQpn) && qpTable == old(qpTable) && writeOpCtxMap == old(writeOpCtxMap)
                && adaptor.toCardWorkRb.contents == old(adaptor.toCardWorkRb.contents)
      ensures dqpn in old(qpTable) ==>
                var qp := old(qpTable)[dqpn];
                var total := TotalLen(sge0, sge1, sge2, sge3);
                var req := BuildRequest(WorkOp.Write, DescCommon(qp, total, raddr, rkey, flags, old(nextMsn)),
                                        SgeList(sge0, sge1, sge2, sge3));
                && qpTable == old(qpTable)[dqpn := qp.(sendingPsn := PsnAdd(qp.sendingPsn, packetCnt(qp.pmtu, raddr, total)))]
                && (r, adaptor.toCardWorkRb.contents, writeOpCtxMap) ==
                   Submit(build(req), old(adaptor.toCardWorkRb.contents), adaptor.toCardWorkRb.depth,
                          old(adaptor.toCardWorkRb.poisoned), old(writeOpCtxMap), old(nextMsn))
    {
      var msn := GetMsn();
      var totalLen := TotalLen(sge0, sge1, sge2, sge3);
      if dqpn !in qpTable {
        return Err(InvalidQpn);
      }
      var qp := qpTable[dqpn];
      var common := DescCommon(qp, totalLen, raddr, rkey, flags, msn);
      var cnt := packetCnt(qp.pmtu, raddr, totalLen);
      qpTable := qpTable[dqpn := qp.(sendingPsn := PsnAdd(qp.sendingPsn, cnt))];
      var desc := build(BuildRequest(WorkOp.Write, common, SgeList(sge0, sge1, sge2, sge3)));
      if desc.Err? {
        return Err(desc.error);
      }
      var sent := SendWorkDesc(desc.value);
      if sent.Err? {
        return Err(sent.error);
      }
      var existed := msn in writeOpCtxMap;
      writeOpCtxMap := writeOpCtxMap[msn := Running];
      if existed {
        return Err(CreateOpCtxFailed);
      }
      r := Ok(msn);
    }

    /** `read`: as `write`, with one SGE, and a reservation of exactly one
        PSN whatever the length. */
    method Read(dqpn: Qpn, raddr: u64, rkey: u32, flags: nat, sge: Sge,
                build: BuildRequest -> Result<ToCardWorkRbDesc, Error>)
      returns (r: Result<Msn, Error>)
      requires Valid()
      modifies this`nextMsn, this`qpTable, this`readOpCtxMap, adaptor.toCardWorkRb
      ensures Valid()
      ensures nextMsn == WrappingAdd16(old(nextMsn), 1)
      ensures adaptor.toCardWorkRb.poisoned == old(adaptor.toCardWorkRb.poisoned)
      ensures dqpn !in old(qpTable) ==>
                && r == Err(InvalidQpn) && qpTable == old(qpTable) && readOpCtxMap == old(readOpCtxMap)
                && adaptor.toCardWorkRb.contents == old(adaptor.toCardWorkRb.contents)
      ensures dqpn in old(qpTable) ==>
                var qp := old(qpTable)[dqpn];
                var req := BuildRequest(WorkOp.Read, DescCommon(qp, sge.len, raddr, rkey, flags, old(nextMsn)), [sge]);
                && qpTable == old(qpTable)[dqpn := qp.(sendingPsn := PsnAdd(qp.sendingPsn, 1))]
                && (r, adaptor.toCardWorkRb.contents, readOpCtxMap) ==
                   Submit(build(req), old(adaptor.toCardWorkRb.contents), adaptor.toCardWorkRb.depth,
                          old(adaptor.toCardWorkRb.poisoned), old(readOpCtxMap), old(nextMsn))
    {
      var msn := GetMsn();
      var totalLen := sge.len;
      if dqpn !in qpTable {
        return Err(InvalidQpn);
      }
      var qp := qpTable[dqpn];
      var common := DescCommon(qp, totalLen, raddr, rkey, flags, msn);
      qpTable := qpTable[dqpn := qp.(sendingPsn := PsnAdd(qp.sendingPsn, 1))];
      var desc := build(BuildRequest(WorkOp.Read, common, [sge]));
      if desc.Err? {
        return Err(desc.error);
      }
      var sent := SendWorkDesc(desc.value);
      if sent.Err? {
        return Err(sent.error);
      }
      var existed := msn in readOpCtxMap;
      readOpCtxMap := readOpCtxMap[msn := Running];
      if existed {
        return Err(CreateOpCtxFailed);
      }
      r := Ok(msn);
    }

    /** `do_ctrl_op`: registers a running context under `id` (replacing
        any earlier one) before anything is pushed; a used id then fails
        with `OpIdUsed` and pushes nothing, a push error gives `DeviceBusy`
        with the context left registered. The result is the id. */
    method DoCtrlOp(id: u32, desc: ToCardCtrlRbDesc) returns (r: Result<u32, Error>)
      requires Valid()
      modifies this`ctrlOpCtxMap, adaptor.toCardCtrlRb
      ensures Valid()
      ensures adaptor.toCardCtrlRb.poisoned == old(adaptor.toCardCtrlRb.poisoned)
      ensures ctrlOpCtxMap == old(ctrlOpCtxMap)[id := Running]
      ensures id in old(ctrlOpCtxMap) ==>
                r == Err(OpIdUsed(id)) && adaptor.toCardCtrlRb.contents == old(adaptor.toCardCtrlRb.contents)
      ensures id !in old(ctrlOpCtxMap) ==>
                var (pushed, ring) := CtrlPush(old(adaptor.toCardCtrlRb.contents), adaptor.toCardCtrlRb.depth,
                                               old(adaptor.toCardCtrlRb.poisoned), desc);
                && adaptor.toCardCtrlRb.contents == ring
                && r == if pushed.Ok? then Ok(id) else Err(DeviceBusy)
    {
      var existed := id in ctrlOpCtxMap;
      ctrlOpCtxMap := ctrlOpCtxMap[id := Running];
      if existed {
        return Err(OpIdUsed(id));
      }
      var pushed := adaptor.PushCtrl(desc);
      if pushed.Err? {
        return Err(DeviceBusy);
      }
      r := Ok(id);
    }

    /** `set_network`: a `SetNetworkParam` descriptor under a fresh
        operation id. `waitResult` is what waiting on the context yields
        (`None` when no result arrives); anything but `Some(true)` fails. */
    method SetNetwork(network: RdmaDeviceNetwork, waitResult: Option<bool>) returns (r: Result<(), Error>)
      requires Valid()
      modifies this`nextCtrlOpId, this`ctrlOpCtxMap, adaptor.toCardCtrlRb
      ensures Valid()
      ensures nextCtrlOpId == WrappingAdd32(old(nextCtrlOpId), 1)
      ensures adaptor.toCardCtrlRb.poisoned == old(adaptor.toCardCtrlRb.poisoned)
      ensures ctrlOpCtxMap == old(ctrlOpCtxMap)[old(nextCtrlOpId) := Running]
      ensures old(nextCtrlOpId) in old(ctrlOpCtxMap) ==>
                && r == Err(OpIdUsed(old(nextCtrlOpId)))
                && adaptor.toCardCtrlRb.contents == old(adaptor.toCardCtrlRb.contents)
      ensures old(nextCtrlOpId) !in old(ctrlOpCtxMap) ==>
                var (pushed, ring) := CtrlPush(old(adaptor.toCardCtrlRb.contents), adaptor.toCardCtrlRb.depth,
                                               old(adaptor.toCardCtrlRb.poisoned),
                                               SetNetworkParam(old(nextCtrlOpId), network));
                && adaptor.toCardCtrlRb.contents == ring
                && r == if pushed.Err? then Err(DeviceBusy)
                        else if waitResult == Some(true) then Ok(())
                        else Err(SetNetworkParamFailed)
    {
      var opId := GetCtrlOpId();
      var desc := SetNetworkParam(opId, network);
      var ctx := DoCtrlOp(opId, desc);
      if ctx.Err? {
        return Err(ctx.error);
      }
      if waitResult.None? {
        return Err(SetNetworkParamFailed);
      }
      if !waitResult.value {
        return Err(SetNetworkParamFailed);
      }
      r := Ok(());
    }
  }
}

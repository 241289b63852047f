/** The descriptors the driver hands to the device: work descriptors (one
    network operation addressed to a queue pair) and control descriptors.
    Their byte serialisation is not part of this model. */
module Descriptors {
  import opened Types

  /** A scatter/gather element: address, length and memory key. */
  datatype Sge = Sge(addr: u64, len: u32, key: u32)

  /** Fields common to every work descriptor (`ToCardWorkRbDescCommon`). */
  datatype WorkCommon = WorkCommon(
    totalLen: u32,
    raddr: u64,
    rkey: u32,
    dqpIp: u32,
    dqpn: Qpn,
    macAddr: u64,
    pmtu: nat,
    flags: nat,
    qpType: nat,
    psn: Psn,
    msn: Msn)

  datatype WorkOp = Write | Read

  /** What `ToCardWorkRbDescBuilder` is given: the operation, the common
      fields and the scatter/gather list, in the order the `with_*` calls add them. */
  datatype BuildRequest = BuildRequest(op: WorkOp, common: WorkCommon, sges: seq<Sge>)

  /** A built work descriptor. `descCnt` is the number of ring slots its
      serialised form reports (`serialized_desc_cnt`); the rule that computes
      it belongs to the serialiser, which is not part of this model. */
  datatype ToCardWorkRbDesc = ToCardWorkRbDesc(
    op: WorkOp,
    common: WorkCommon,
    sges: seq<Sge>,
    descCnt: nat)

  /** The local network parameters the device is configured with. */
  datatype RdmaDeviceNetwork = RdmaDeviceNetwork(gateway: u32, netmask: u32, ipaddr: u32, macaddr: u64)

  /** A control descriptor, identified by its 32-bit operation id. */
  datatype ToCardCtrlRbDesc = SetNetworkParam(opId: u32, network: RdmaDeviceNetwork)
}

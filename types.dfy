/** Shared value types of the driver: fixed-width integers, the identifiers
    of queue pairs and operations, error kinds and the state of an operation
    context. */
module Types {

  datatype Option<+T> = None | Some(value: T)

  datatype Result<+T, +E> = Ok(value: T) | Err(error: E)

  const U16_MODULUS: int := 0x1_0000
  const U24_MODULUS: int := 0x100_0000
  const U32_MODULUS: int := 0x1_0000_0000

  type u16 = x: int | 0 <= x < 0x1_0000
  type u32 = x: int | 0 <= x < 0x1_0000_0000
  type u64 = x: int | 0 <= x < 0x1_0000_0000_0000_0000

  /** Queue pair number: a three-byte value. */
  type Qpn = x: int | 0 <= x < 0x100_0000

  /** Message sequence number: the 16-bit counter `next_msn` hands out. */
  type Msn = u16

  /** Packet sequence number: the 24-bit PSN field of the base transport header. */
  type Psn = x: int | 0 <= x < 0x100_0000

  /** `wrapping_add` on a 16-bit counter. */
  function WrappingAdd16(x: u16, n: nat): (r: u16)
    ensures (x + n - r) % U16_MODULUS == 0
    ensures x + n < U16_MODULUS ==> r == x + n
  {
    (x + n) % U16_MODULUS
  }

  /** `wrapping_add` on a 32-bit counter. */
  function WrappingAdd32(x: u32, n: nat): (r: u32)
    ensures (x + n - r) % U32_MODULUS == 0
    ensures x + n < U32_MODULUS ==> r == x + n
  {
    (x + n) % U32_MODULUS
  }

  /** `wrapping_add` on a PSN: the sequence space is 24 bits wide. */
  function PsnAdd(p: Psn, n: nat): (r: Psn)
    ensures (p + n - r) % U24_MODULUS == 0
    ensures p + n < U24_MODULUS ==> r == p + n
  {
    (p + n) % U24_MODULUS
  }

  /** Errors of a device backend (`DeviceError`). */
  datatype DeviceError =
    | Device(msg: string)
    | Overflow
    | LockPoisoned

  /** Errors of the driver's public interface (`Error`). */
  datatype Error =
    | InvalidQpn
    | CreateOpCtxFailed
    | OpIdUsed(id: u32)
    | DeviceBusy
    | SetNetworkParamFailed
    | ResourceNoAvailable
    | BuildDescFailed(reason: string)

  /** State of a one-shot operation context. */
  datatype CtxStatus = Running | Succeeded | Failed(reason: string)

  /** `set_error`: only a running context takes the terminal transition; a
      context that is already resolved keeps its result. */
  function SetError(s: CtxStatus, reason: string): (r: CtxStatus)
    ensures s.Running? ==> r == Failed(reason)
    ensures !s.Running? ==> r == s
  {
    if s.Running? then Failed(reason) else s
  }
}

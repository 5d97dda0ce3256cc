/** The few Windows types and status codes the other modules share. */
module Win32 {

  const TWO_TO_8: int := 0x100
  const TWO_TO_16: int := 0x1_0000
  const TWO_TO_31: int := 0x8000_0000
  const TWO_TO_32: int := 0x1_0000_0000

  type Byte = x: int | 0 <= x < 0x100
  type ULong = x: int | 0 <= x < 0x1_0000_0000

  type Bytes = seq<Byte>

  datatype Option<+T> = None | Some(value: T)

  function OrElse<T>(x: Option<T>, other: T): T
  {
    if x.Some? then x.value else other
  }

  function AsSeq<T>(x: Option<T>): seq<T>
  {
    if x.Some? then [x.value] else []
  }

  /** The NTSTATUS values that the modelled driver code returns. */
  datatype NtStatus =
    | StatusSuccess
    | StatusInvalidParameter
    | StatusNotImplemented
    | StatusIntegerOverflow
    | StatusInvalidDeviceState
    | StatusBufferTooSmall
    | StatusInsufficientResources
    | StatusNotSupported
    | StatusPending
    | StatusUnsuccessful
}
